/**
 * The character device of ay-d19m.c: the hard interrupt handler that
 * shifts in one Wiegand bit per falling edge, the threaded handler that
 * decodes a complete frame and queues the text as a record, the read,
 * open and release file operations, and the timer that switches the
 * keypad's power on, retries, gives up, and power-cycles the keypad when
 * a frame does not complete.
 *
 * The driver's globals are the fields of one Driver object.  Each handler
 * and file operation is a method that updates them the way the C code
 * does; its contract is a step function on the State value, which the
 * lemmas of DriverProps reason about.
 */
module Driver {
  import opened Bits
  import opened Text
  import opened Formats
  import opened Legacy
  import opened LegacyProps
  import opened KernelList

  /** `MAX_READSZ` of ay-d19m.h: the size of the threaded handler's text buffer. */
  const READ_BUFFER: nat := 30

  /** The error numbers the file operations return, negated. */
  const EINTR: int := 4
  const EBADF: int := 9
  const EACCES: int := 13
  const EBUSY: int := 16
  /** Returned by an interruptible wait that a signal ends. */
  const ERESTARTSYS: int := 512

  /** The timer delays in use: HZ/10, HZ/4, HZ/2, HZ and 60*HZ. */
  datatype Delay = Tenth | Quarter | Half | Second | Minute

  /**
   * `wiegand_timeout`: not pending, pending to expire a delay after now
   * (`mod_timer(t, jiffies + d)`), or pending with the absolute expiry
   * value d itself (`mod_timer(t, d)`), not a delay from now: when it
   * fires depends on the current jiffies, which the model does not track.
   */
  datatype Timer = Disarmed | After(d: Delay) | At(d: Delay)

  /** The levels `gpio_get_value` reads on D0 and D1 in the hard handler. */
  datatype Lines = Lines(d0: bool, d1: bool)

  /**
   * The frame being shifted in: `bitmsk`, the bit the next edge fills, and
   * the words `data0` and `data1` collected from the two lines.
   */
  datatype Frame = Frame(bitmsk: bv32, data0: bv32, data1: bv32)

  /**
   * The driver's globals: the load-time mode and `wiegandMask`, the frame
   * being shifted in, the records of
   * `todo_list` in queue order, `isOpen`, the open file's position, the
   * level driven on the power pin, the timer function's `state` and the
   * timer itself.
   */
  datatype State = State(
    mode: Mode,
    mask: bv32,
    frame: Frame,
    records: seq<string>,
    isOpen: bool,
    fpos: nat,
    power: bool,
    powerState: nat,
    timer: Timer)

  /** A queued record: a decoder text followed by the newline the thread appends. */
  predicate IsRecord(r: string)
  {
    1 <= |r| <= 26 && r[|r| - 1] == '\n' && NUL !in r
  }

  predicate AllRecords(q: seq<string>)
  {
    forall i :: 0 <= i < |q| ==> IsRecord(q[i])
  }

  /** The mode is one `ffmt` has an entry for, and `wiegandMask` is that mode's mask. */
  predicate Configured(m: Mode, mask: bv32)
  {
    DriverMode(m) && mask == MaskOf(m)
  }

  /** What every reachable state satisfies. */
  predicate Invariant(s: State)
  {
    Configured(s.mode, s.mask) && s.powerState <= 5 && AllRecords(s.records)
  }

  /**
   * The state after `ayd19m_init_module`: `bitmsk` is a static that
   * starts at 0 and is not set to the mask, the power pin is requested as
   * a low output, and the timer is set up but not started.
   */
  function Loaded(m: Mode): (s: State)
    requires DriverMode(m)
    ensures Invariant(s) && !Starts(s.frame, s.mask)
  {
    State(m, MaskOf(m), Frame(0, 0, 0), [], false, 0, false, 0, Disarmed)
  }

  // ---------------------------------------------------------------- steps

  /** The next edge is the first bit of a frame: `bitmsk == wiegandMask`. */
  predicate Starts(f: Frame, mask: bv32)
  {
    f.bitmsk == mask
  }

  /**
   * The frame the threaded handler and the timer function leave behind:
   * the next edge starts a new frame.
   */
  function Restart(mask: bv32): (f: Frame)
    ensures Starts(f, mask)
  {
    Frame(mask, 0, 0)
  }

  /** `data |= gpio_get_value(line) ? bitmsk : 0`: the bit is set in the word of a line that reads high. */
  function Latch(data: bv32, high: bool, bit: bv32): bv32
  {
    if high then data | bit else data
  }

  /** `bitmsk >>= 1`. */
  function Down(bit: bv32): bv32
  {
    bit >> 1
  }

  /**
   * The bit arithmetic of `ay_d19m_irqdata`.  At the first bit of a frame
   * both words restart; otherwise the current `bitmsk` is ORed into the
   * word of each line that reads high; then `bitmsk` moves one bit down.
   */
  function Shift(f: Frame, mask: bv32, l: Lines): Frame
  {
    if f.bitmsk == mask then
      Frame(Down(f.bitmsk), Latch(0, l.d0, f.bitmsk), Latch(0, l.d1, f.bitmsk))
    else
      Frame(Down(f.bitmsk), Latch(f.data0, l.d0, f.bitmsk), Latch(f.data1, l.d1, f.bitmsk))
  }

  /** The hard handler returns `IRQ_WAKE_THREAD` once `bitmsk` has reached 0. */
  predicate Wakes(f: Frame)
  {
    f.bitmsk == 0
  }

  /**
   * `ay_d19m_irqdata`: one falling edge on D0 or D1 shifts in one bit, and
   * the first bit of a frame arms the 100 ms frame timeout.
   */
  function Sample(s: State, l: Lines): (r: State)
    ensures Invariant(s) ==> Invariant(r)
    ensures r.records == s.records && r.powerState == s.powerState && r.power == s.power
    ensures r.timer == if Starts(s.frame, s.mask) then After(Tenth) else s.timer
  {
    s.(frame := Shift(s.frame, s.mask, l), timer := if Starts(s.frame, s.mask) then After(Tenth) else s.timer)
  }

  /**
   * `ay_d19m_thread`: decode the frame with the mode's `ffmt` entry; a
   * non-empty text becomes a record when the allocation succeeds, and then
   * the frame timeout is cancelled.  Either way the frame restarts.
   */
  function Deliver(s: State, memory: bool): (r: State)
    requires Invariant(s)
    ensures Invariant(r)
    ensures |s.records| <= |r.records| <= |s.records| + 1 && r.records[..|s.records|] == s.records
    ensures r.frame == Restart(r.mask)
  {
    OldDecodeSize(s.mode, s.frame.data0, s.frame.data1);
    Enqueue(s, OldDecode(s.mode, s.frame.data0, s.frame.data1), memory)
  }

  /** What the threaded handler does with the decoded text. */
  function Enqueue(s: State, text: string, memory: bool): (r: State)
    requires Invariant(s) && |text| <= 25 && NUL !in text
    ensures Invariant(r)
    ensures |s.records| <= |r.records| <= |s.records| + 1 && r.records[..|s.records|] == s.records
    ensures r.frame == Restart(r.mask)
  {
    var queued := memory && text != "";
    var r := s.(records := if queued then s.records + [text + "\n"] else s.records,
                timer := if queued then Disarmed else s.timer,
                frame := Restart(s.mask));
    assert queued ==> IsRecord(r.records[|s.records|]) && r.records[|s.records|] == text + "\n";
    r
  }

  /** What a read returns: the value and the bytes copied to the caller. */
  datatype Reply = Reply(retval: int, bytes: string)

  function Min(a: nat, b: nat): nat
  {
    if a <= b then a else b
  }

  /** The record as `data->data` holds it, with its terminating NUL. */
  function Stored(r: string): string
  {
    r + [NUL]
  }

  /**
   * `copy_to_user` reports how many of the bytes it was asked for it
   * could not copy: never more than it was asked for.
   */
  predicate CopyWithin(s: State, count: nat, uncopied: nat)
  {
    s.records != [] && s.fpos < |Stored(s.records[0])| ==> uncopied <= Min(|Stored(s.records[0])| - s.fpos, count)
  }

  /**
   * `ayd19m_read` as written: a blocking read of an empty queue waits (the
   * wait a signal ends); a read interrupted on the mutex fails; an empty
   * queue gives 0.  Otherwise the head record is copied from the file
   * position on, at most count bytes, after which the file position is
   * SET to the number of bytes copied, and the record is dropped once a
   * read has copied more bytes than the text has characters, NUL
   * included.  A file position at or past the end drops the record and
   * returns 0.
   */
  function ReadStepAsWritten(s: State, nonblock: bool, interrupted: bool, count: nat, uncopied: nat): (p: (State, Reply))
    requires CopyWithin(s, count, uncopied)
    ensures Invariant(s) ==> Invariant(p.0)
    ensures p.0.isOpen == s.isOpen && p.0.power == s.power && p.0.timer == s.timer
    ensures p.0.records == s.records || (s.records != [] && p.0.records == s.records[1..])
    // the head is dropped exactly when the position is at or past its end, or one read copies all of it, NUL included
    ensures |p.0.records| < |s.records| <==>
      s.records != [] && !interrupted &&
      (s.fpos >= |Stored(s.records[0])| || (s.fpos == 0 && uncopied == 0 && count >= |Stored(s.records[0])|))
    // a copy that keeps the head leaves the position at the number of bytes copied, not past them
    ensures s.records != [] && !interrupted && s.fpos < |Stored(s.records[0])| ==>
      p.1.retval == Min(|Stored(s.records[0])| - s.fpos, count) - uncopied &&
      p.1.bytes == Stored(s.records[0])[s.fpos..s.fpos + p.1.retval] &&
      p.0.fpos == (if |p.0.records| < |s.records| then 0 else p.1.retval)
    ensures s.records == [] || interrupted || s.fpos >= |Stored(s.records[0])| ==> p.0.fpos == s.fpos && p.1.bytes == []
  {
    if !nonblock && s.records == [] then (s, Reply(-ERESTARTSYS, []))
    else if interrupted then (s, Reply(-EINTR, []))
    else if s.records == [] then (s, Reply(0, []))
    else
      var data := Stored(s.records[0]);
      if s.fpos < |data| then
        var n := Min(|data| - s.fpos, count) - uncopied;
        var bytes := data[s.fpos..s.fpos + n];
        if n > |s.records[0]| then (s.(fpos := 0, records := s.records[1..]), Reply(n, bytes))
        else (s.(fpos := n), Reply(n, bytes))
      else (s.(records := s.records[1..]), Reply(0, []))
  }

  /**
   * `ayd19m_read` with the file position advanced by the bytes copied
   * (`*f_pos += n`), and the record dropped once the position has passed
   * its last character, so the NUL has been copied too.  Everything else
   * is as written.
   */
  function ReadStep(s: State, nonblock: bool, interrupted: bool, count: nat, uncopied: nat): (p: (State, Reply))
    requires CopyWithin(s, count, uncopied)
    ensures Invariant(s) ==> Invariant(p.0)
    ensures p.0.isOpen == s.isOpen && p.0.power == s.power && p.0.timer == s.timer
    ensures p.0.records == s.records || (s.records != [] && p.0.records == s.records[1..])
    // the head is dropped exactly when the position is at or past its end, or this read copies its NUL
    ensures |p.0.records| < |s.records| <==>
      s.records != [] && !interrupted &&
      (s.fpos >= |Stored(s.records[0])| || s.fpos + Min(|Stored(s.records[0])| - s.fpos, count) - uncopied == |Stored(s.records[0])|)
    // a copy that keeps the head moves the position past the bytes copied
    ensures s.records != [] && !interrupted && s.fpos < |Stored(s.records[0])| ==>
      p.1.retval == Min(|Stored(s.records[0])| - s.fpos, count) - uncopied &&
      p.1.bytes == Stored(s.records[0])[s.fpos..s.fpos + p.1.retval] &&
      p.0.fpos == (if |p.0.records| < |s.records| then 0 else s.fpos + p.1.retval)
    ensures s.records == [] || interrupted || s.fpos >= |Stored(s.records[0])| ==> p.0.fpos == s.fpos && p.1.bytes == []
  {
    if !nonblock && s.records == [] then (s, Reply(-ERESTARTSYS, []))
    else if interrupted then (s, Reply(-EINTR, []))
    else if s.records == [] then (s, Reply(0, []))
    else ReadHead(s, count, uncopied)
  }

  /** The part of ReadStep that takes from the head record. */
  function ReadHead(s: State, count: nat, uncopied: nat): (p: (State, Reply))
    requires s.records != [] && CopyWithin(s, count, uncopied)
    ensures Invariant(s) ==> Invariant(p.0)
    ensures p.0.isOpen == s.isOpen && p.0.power == s.power && p.0.timer == s.timer
    ensures p.0.records == s.records || p.0.records == s.records[1..]
  {
    if s.fpos < |Stored(s.records[0])| then CopyOut(s, count, uncopied)
    else (s.(records := s.records[1..]), Reply(0, []))
  }

  /**
   * Copy at most count bytes of the head record from the file position
   * on; the position advances past them, and once it has passed the
   * last character the record is dropped and the position is reset.
   */
  function CopyOut(s: State, count: nat, uncopied: nat): (p: (State, Reply))
    requires s.records != [] && s.fpos < |Stored(s.records[0])| && CopyWithin(s, count, uncopied)
    ensures Invariant(s) ==> Invariant(p.0)
    ensures p.0.isOpen == s.isOpen && p.0.power == s.power && p.0.timer == s.timer
    ensures p.0.records == s.records || p.0.records == s.records[1..]
  {
    var data := Stored(s.records[0]);
    var n := Min(|data| - s.fpos, count) - uncopied;
    (Advance(s, n), Reply(n, data[s.fpos..s.fpos + n]))
  }

  /**
   * The file position after n more bytes of the head record; once it has
   * passed the last character the record is dropped and the position
   * is reset.
   */
  function Advance(s: State, n: nat): (r: State)
    requires s.records != [] && s.fpos + n <= |Stored(s.records[0])|
    ensures Invariant(s) ==> Invariant(r)
    ensures r.isOpen == s.isOpen && r.power == s.power && r.timer == s.timer
    ensures r.records == s.records || r.records == s.records[1..]
  {
    if s.fpos + n > |s.records[0]| then s.(fpos := 0, records := s.records[1..])
    else s.(fpos := s.fpos + n)
  }

  /**
   * `ayd19m_open`: only read-only opens are allowed, and only one at a
   * time; a successful open starts the timer with the absolute expiry
   * HZ/4, and the new file's position is 0.
   */
  function OpenStep(s: State, writable: bool, interrupted: bool): (p: (State, int))
    ensures Invariant(s) ==> Invariant(p.0)
    ensures p.1 == 0 <==> !writable && !interrupted && !s.isOpen
    ensures p.1 == 0 ==> p.0.isOpen && p.0.fpos == 0 && p.0.timer == At(Quarter)
    ensures p.1 != 0 ==> p.0 == s
  {
    if writable then (s, -EACCES)
    else if interrupted then (s, -EINTR)
    else if s.isOpen then (s, -EBUSY)
    else (s.(isOpen := true, fpos := 0, timer := At(Quarter)), 0)
  }

  /**
   * `ayd19m_release`: a close interrupted on the mutex changes nothing;
   * closing a device that is not open is reported; a blocking close
   * switches the keypad off and frees every queued record.  The device is
   * no longer open afterwards, and the timer keeps running.
   */
  function ReleaseStep(s: State, nonblock: bool, interrupted: bool): (p: (State, int))
    ensures Invariant(s) ==> Invariant(p.0)
    ensures interrupted ==> p == (s, -EINTR)
    ensures !interrupted ==> !p.0.isOpen && (p.1 == 0 <==> s.isOpen)
    ensures !interrupted && s.isOpen && !nonblock ==> p.0.records == [] && !p.0.power
    ensures p.0.timer == s.timer && p.0.powerState == s.powerState
  {
    if interrupted then (s, -EINTR)
    else if !s.isOpen then (s.(isOpen := false), -EBADF)
    else if !nonblock then (s.(power := false, records := [], isOpen := false), 0)
    else (s.(isOpen := false), 0)
  }

  /** The part of the state the timer function's switch drives: the power pin, `state` and the timer. */
  datatype Supply = Supply(power: bool, state: nat, timer: Timer)

  /**
   * The switch of `wiegand_timeoutfunc`, given the level read back from
   * the power pin.  State 0 switches the power on and checks it half a
   * second later; states 1 to 3 retry while the pin reads low and
   * otherwise stop the timer in state 5; state 4 gives up and starts over
   * with the absolute expiry 60*HZ; state 5, reached when a frame timeout
   * expires, switches the power off and starts over a second later.
   */
  function Cycle(p: Supply, readBack: bool): (q: Supply)
    requires p.state <= 5
    ensures q.state <= 5
    ensures 1 <= p.state <= 3 && readBack ==> q == p.(state := 5, timer := Disarmed)
    ensures q.timer == Disarmed <==> 1 <= p.state <= 3 && readBack
  {
    if p.state == 0 then Supply(true, 1, After(Half))
    else if p.state <= 3 then
      if !readBack then Supply(true, p.state + 1, After(Half))
      else Supply(p.power, 5, Disarmed)
    else if p.state == 4 then Supply(p.power, 0, At(Minute))
    else Supply(false, 0, After(Second))
  }

  /** `wiegand_timeoutfunc`: the switch, after which the frame restarts. */
  function Expire(s: State, readBack: bool): (r: State)
    requires s.powerState <= 5
    ensures Invariant(s) ==> Invariant(r)
    ensures r.records == s.records && r.isOpen == s.isOpen && r.fpos == s.fpos
    ensures r.frame == Restart(r.mask)
  {
    var c := Cycle(Supply(s.power, s.powerState, s.timer), readBack);
    s.(power := c.power, powerState := c.state, timer := c.timer, frame := Restart(s.mask))
  }

  /**
   * `rbuffer[s++] = '\n'; rbuffer[s++] = '\0';` after a decoder has left
   * its text in the buffer, and the string `strncpy` then copies out.
   */
  method Terminate(rbuffer: array<char>, s: nat, ghost text: string) returns (record: string)
    requires 1 <= s && s + 2 <= rbuffer.Length && rbuffer[..s] == text
    modifies rbuffer
    ensures record == text + "\n"
  {
    var n := s;
    rbuffer[n] := '\n';
    n := n + 1;
    rbuffer[n] := NUL;
    n := n + 1;
    assert rbuffer[..n - 1] == rbuffer[..n - 2] + [rbuffer[n - 2]];
    record := rbuffer[..n - 1];
  }

  // ---------------------------------------------------------------- the driver

  class Driver {
    /** `ay_d19m_mode`, as it was when the module was loaded. */
    var mode: Mode
    /** `wiegandMask`. */
    var mask: bv32
    var bitmsk: bv32
    var data0: bv32
    var data1: bv32
    /** The records of `todo_list`, head first. */
    var records: seq<string>
    var isOpen: bool
    /** `*f_pos` of the open file. */
    var fpos: nat
    /** The level driven on `ay_d19m_power`. */
    var power: bool
    /** The static `state` of `wiegand_timeoutfunc`. */
    var powerState: nat
    var timer: Timer

    function Snapshot(): State
      reads this
    {
      State(mode, mask, Frame(bitmsk, data0, data1), records, isOpen, fpos, power, powerState, timer)
    }

    predicate Valid()
      reads this
    {
      Invariant(Snapshot())
    }

    /** `ayd19m_init_module`, as far as the driver's own state goes. */
    constructor (m: Mode)
      requires DriverMode(m)
      ensures Snapshot() == Loaded(m) && Valid()
    {
      mode := m;
      mask := MaskOf(m);
      bitmsk := 0;
      data0, data1 := 0, 0;
      records := [];
      isOpen := false;
      fpos := 0;
      power := false;
      powerState := 0;
      timer := Disarmed;
    }

    /** `ay_d19m_irqdata`; wake is `IRQ_WAKE_THREAD`. */
    method IrqData(l: Lines) returns (wake: bool)
      requires Valid()
      modifies this
      ensures Snapshot() == Sample(old(Snapshot()), l) && Valid()
      ensures wake == Wakes(Snapshot().frame)
    {
      if bitmsk == mask {
        data1 := Latch(0, l.d1, bitmsk);
        data0 := Latch(0, l.d0, bitmsk);
        timer := After(Tenth);
      } else {
        data1 := Latch(data1, l.d1, bitmsk);
        data0 := Latch(data0, l.d0, bitmsk);
      }
      bitmsk := Down(bitmsk);
      wake := bitmsk == 0;
    }

    /** `ay_d19m_thread`; memory says whether `kmalloc` succeeded. */
    method IrqThread(memory: bool)
      requires Valid()
      modifies this
      ensures Snapshot() == Deliver(old(Snapshot()), memory) && Valid()
    {
      ghost var s0 := Snapshot();
      ghost var text := OldDecode(mode, data0, data1);
      OldDecodeSize(mode, data0, data1);
      var s, record := Format();
      Queue(s, record, memory, text);
      assert Deliver(s0, memory) == Enqueue(s0, text, memory);
    }

    /**
     * The decoding half of `ay_d19m_thread`: the mode's `ffmt` entry
     * writes the text into `rbuffer`, and a non-empty text gets its
     * newline and NUL.
     */
    method Format() returns (s: nat, record: string)
      requires Valid()
      ensures s == |OldDecode(mode, data0, data1)|
      ensures s != 0 ==> record == OldDecode(mode, data0, data1) + "\n"
    {
      ghost var text := OldDecode(mode, data0, data1);
      OldDecodeSize(mode, data0, data1);
      var rbuffer := new char[READ_BUFFER];
      s := Ffmt(mode, data0, data1, rbuffer, READ_BUFFER - 2);
      record := [];
      if s != 0 {
        record := Terminate(rbuffer, s, text);
      }
    }

    /**
     * The queueing half of `ay_d19m_thread`: a record of s characters
     * other than the newline is added when memory for it was found, which
     * also cancels the frame timeout; then the frame restarts.
     */
    method Queue(s: nat, record: string, memory: bool, ghost text: string)
      requires Valid() && |text| <= 25 && NUL !in text
      requires s == |text| && (s != 0 ==> record == text + "\n")
      modifies this
      ensures Snapshot() == Enqueue(old(Snapshot()), text, memory) && Valid()
    {
      if s != 0 && memory {
        timer := Disarmed;
        records := records + [record];
      }
      data0, data1 := 0, 0;
      bitmsk := mask;
    }

    /**
     * `ayd19m_read`, with the file position advanced rather than
     * overwritten (ReadStep); uncopied is what `copy_to_user` reports it
     * could not copy.
     */
    method Read(nonblock: bool, interrupted: bool, count: nat, uncopied: nat) returns (r: int, bytes: string)
      requires Valid() && CopyWithin(Snapshot(), count, uncopied)
      modifies this
      ensures (Snapshot(), Reply(r, bytes)) == ReadStep(old(Snapshot()), nonblock, interrupted, count, uncopied)
      ensures Valid()
    {
      r, bytes := 0, [];
      if !nonblock && records == [] {
        r := -ERESTARTSYS;
        return;
      }
      if interrupted {
        r := -EINTR;
        return;
      }
      if records != [] {
        r, bytes := TakeHead(count, uncopied);
      }
    }

    /** The body of `ayd19m_read` once the queue holds a record. */
    method TakeHead(count: nat, uncopied: nat) returns (r: int, bytes: string)
      requires Valid() && records != [] && CopyWithin(Snapshot(), count, uncopied)
      modifies this
      ensures (Snapshot(), Reply(r, bytes)) == ReadHead(old(Snapshot()), count, uncopied)
      ensures Valid()
    {
      if fpos < |Stored(records[0])| {
        r, bytes := Copy(count, uncopied);
      } else {
        records := records[1..];
        r, bytes := 0, [];
      }
    }

    /** The copy of `ayd19m_read`, from a file position inside the head record. */
    method Copy(count: nat, uncopied: nat) returns (r: int, bytes: string)
      requires Valid() && records != [] && fpos < |Stored(records[0])| && CopyWithin(Snapshot(), count, uncopied)
      modifies this
      ensures (Snapshot(), Reply(r, bytes)) == CopyOut(old(Snapshot()), count, uncopied)
      ensures Valid()
    {
      ghost var s0 := Snapshot();
      var data := Stored(records[0]);
      var n := |data|;
      n := n - fpos;
      if count < n {
        n := count;
      }
      n := n - uncopied;
      bytes := data[fpos..fpos + n];
      assert CopyOut(s0, count, uncopied) == (Advance(s0, n), Reply(n, bytes));
      MoveOn(n);
      r := n;
    }

    /** `*f_pos += n`, and the record dropped once the position has passed its last character. */
    method MoveOn(n: nat)
      requires Valid() && records != [] && fpos + n <= |Stored(records[0])|
      modifies this
      ensures Snapshot() == Advance(old(Snapshot()), n) && Valid()
    {
      var pos := fpos + n;
      if pos > |records[0]| {
        fpos := 0;
        records := records[1..];
      } else {
        fpos := pos;
      }
    }

    /** `ayd19m_open`; writable is a write or read-write open. */
    method Open(writable: bool, interrupted: bool) returns (r: int)
      requires Valid()
      modifies this
      ensures (Snapshot(), r) == OpenStep(old(Snapshot()), writable, interrupted) && Valid()
    {
      r := -EACCES;
      if !writable {
        if interrupted {
          r := -EINTR;
        } else if !isOpen {
          isOpen := true;
          fpos := 0;
          timer := At(Quarter);
          r := 0;
        } else {
          r := -EBUSY;
        }
      }
    }

    /**
     * `ayd19m_release`.  The records are freed by walking the ring from
     * the list head, which visits each record once (DrainFromHead).
     */
    method Release(nonblock: bool, interrupted: bool) returns (r: int)
      requires Valid()
      modifies this
      ensures (Snapshot(), r) == ReleaseStep(old(Snapshot()), nonblock, interrupted) && Valid()
    {
      if interrupted {
        r := -EINTR;
        return;
      }
      r := 0;
      if !isOpen {
        r := -EBADF;
      } else if !nonblock {
        power := false;
        var freed := ForEachSafe(|records|, 0);
        DrainFromHead(|records|);
        records := [];
      }
      isOpen := false;
    }

    /** `wiegand_timeoutfunc`, run when the pending timer expires. */
    method TimeoutFunc(readBack: bool)
      requires Valid() && timer != Disarmed
      modifies this
      ensures Snapshot() == Expire(old(Snapshot()), readBack) && Valid()
    {
      Switch(readBack);
      data0, data1 := 0, 0;
      bitmsk := mask;
    }

    /** The switch of `wiegand_timeoutfunc`: only the power pin, `state` and the timer change. */
    method Switch(readBack: bool)
      requires powerState <= 5
      modifies this
      ensures Supply(power, powerState, timer) == Cycle(old(Supply(power, powerState, timer)), readBack)
      ensures mode == old(mode) && mask == old(mask) && records == old(records)
      ensures isOpen == old(isOpen) && fpos == old(fpos)
    {
      if powerState == 0 {
        power := true;
        powerState := 1;
        timer := After(Half);
      } else if powerState <= 3 {
        if !readBack {
          power := true;
          powerState := powerState + 1;
          timer := After(Half);
        } else {
          timer := Disarmed;
          powerState := 5;
        }
      } else if powerState == 4 {
        powerState := 0;
        timer := At(Minute);
      } else {
        power := false;
        powerState := 0;
        timer := After(Second);
      }
    }
  }
}
