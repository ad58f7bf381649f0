/** The flash controller's one-block write-back buffer in front of a block device, against a flat device. */
module Flash {

  import opened ByteSeq

  const WIDTH: nat := 512

  // ---------------------------------------------------------------- the buffer as a value

  datatype Buffer = Buffer(device: Bytes, buf: Bytes, offs: nat, dirty: bool, active: bool)

  /** The outcome of the system calls a step may make. A failed call changes neither the device nor the buffer. */
  datatype Io = Io(writeOk: bool, readOk: bool)

  predicate HasBlock(device: Bytes, b: nat) { b * WIDTH + WIDTH <= |device| }

  function Block(device: Bytes, b: nat): (r: Bytes)
    requires HasBlock(device, b)
    ensures |r| == WIDTH
  {
    device[b * WIDTH..b * WIDTH + WIDTH]
  }

  predicate Shape(s: Buffer) { |s.buf| == WIDTH && (s.active ==> HasBlock(s.device, s.offs)) }

  /** A clean active buffer holds what the device holds. */
  predicate Coherent(s: Buffer) {
    Shape(s) && (s.active && !s.dirty ==> s.buf == Block(s.device, s.offs))
  }

  /** The device as the guest sees it. */
  function Flat(s: Buffer): (r: Bytes)
    requires Shape(s)
    ensures |r| == |s.device|
  {
    if s.active then Splice(s.device, s.offs * WIDTH, s.buf) else s.device
  }

  function WriteBlock(s: Buffer, ok: bool): Buffer
    requires Shape(s) && s.active
  {
    if ok then s.(device := Splice(s.device, s.offs * WIDTH, s.buf), dirty := false) else s
  }

  function SetPos(s: Buffer, b: nat, io: Io): Buffer
    requires Shape(s) && HasBlock(s.device, b)
  {
    if s.active && b == s.offs then s
    else
      var w := if s.dirty && s.active then WriteBlock(s, io.writeOk) else s;
      if io.readOk then Buffer(w.device, Block(w.device, b), b, false, true)
      else Buffer(w.device, w.buf, b, w.dirty, true)
  }

  function SetData(s: Buffer, pos: nat, data: Bytes): Buffer
    requires Shape(s) && pos + |data| <= WIDTH
  {
    s.(buf := Splice(s.buf, pos, data), dirty := true)
  }

  function Clear(s: Buffer, ok: bool): Buffer
    requires Shape(s)
  {
    (if s.active && s.dirty then WriteBlock(s, ok) else s).(active := false)
  }

  // ---------------------------------------------------------------- what moving the buffer keeps

  /** The write-back that a move to another block makes. */
  function Flushed(s: Buffer, io: Io): Bytes
    requires Shape(s)
  {
    if s.active && s.dirty && io.writeOk then Flat(s) else s.device
  }

  /** Splicing at another block cannot repair a block that differs. */
  lemma {:induction false} OtherBlockUntouched(device: Bytes, b: nat, data: Bytes, c: nat)
    requires HasBlock(device, b) && HasBlock(device, c) && b != c && |data| == WIDTH
    ensures Block(Splice(device, b * WIDTH, data), c) == Block(device, c)
  {
  }

  /** Moving the buffer leaves the flat device as it was if and only if a write-back that is needed succeeds, and the read
      succeeds or the stale buffer happens to equal the new block. */
  lemma {:induction false} SetPosKeepsFlatIff(s: Buffer, b: nat, io: Io)
    requires Coherent(s) && HasBlock(s.device, b) && (s.active ==> b != s.offs)
    ensures Flat(SetPos(s, b, io)) == Flat(s) <==>
            && (s.active && s.buf != Block(s.device, s.offs) ==> io.writeOk)
            && (io.readOk || s.buf == Block(Flat(s), b))
  {
    var flushed := Flushed(s, io);
    var data := if io.readOk then Block(flushed, b) else s.buf;
    assert Flat(SetPos(s, b, io)) == Splice(flushed, b * WIDTH, data);
    SpliceSame(flushed, b * WIDTH, data);
    if s.active {
      SpliceSame(s.device, s.offs * WIDTH, s.buf);
      OtherBlockUntouched(flushed, b, data, s.offs);
    }
  }

  /** A failed write-back of a block that differs from the device loses that block's writes. */
  lemma {:induction false} FailedWriteLoses(s: Buffer, b: nat)
    requires Shape(s) && s.active && s.dirty && HasBlock(s.device, b) && b != s.offs
    requires s.buf != Block(s.device, s.offs)
    ensures Flat(SetPos(s, b, Io(false, true))) == s.device != Flat(s)
  {
    SpliceSame(s.device, b * WIDTH, Block(s.device, b));
    SpliceSame(s.device, s.offs * WIDTH, s.buf);
  }

  lemma {:induction false} SetPosIsInvisible(s: Buffer, b: nat)
    requires Coherent(s) && HasBlock(s.device, b)
    ensures var t := SetPos(s, b, Io(true, true));
            Coherent(t) && t.active && t.offs == b && |t.device| == |s.device| && Flat(t) == Flat(s)
  {
    var io := Io(true, true);
    if s.active {
      SpliceSame(s.device, s.offs * WIDTH, s.buf);
    }
    SpliceSame(Flushed(s, io), b * WIDTH, Block(Flushed(s, io), b));
  }

  /** With its write succeeding, clear leaves the device equal to the flat state. */
  lemma {:induction false} ClearFlushes(s: Buffer)
    requires Coherent(s)
    ensures Coherent(Clear(s, true)) && Clear(s, true).device == Flat(s) == Flat(Clear(s, true))
  {
    if s.active {
      SpliceSame(s.device, s.offs * WIDTH, s.buf);
    }
  }

  lemma {:induction false} SetDataWritesFlat(s: Buffer, pos: nat, data: Bytes)
    requires Coherent(s) && s.active && pos + |data| <= WIDTH
    ensures Coherent(SetData(s, pos, data))
    ensures Flat(SetData(s, pos, data)) == Splice(Flat(s), s.offs * WIDTH + pos, data)
  {
    SpliceInside(s.device, s.offs * WIDTH, s.buf, pos, data);
  }

  lemma {:induction false} GetDataReadsFlat(s: Buffer, pos: nat, len: nat)
    requires Shape(s) && s.active && pos + len <= WIDTH
    ensures s.buf[pos..pos + len] == Flat(s)[s.offs * WIDTH + pos..s.offs * WIDTH + pos + len]
  {
    var at := s.offs * WIDTH;
    var window := Flat(s)[at + pos..at + pos + len];
    forall i | 0 <= i < len
      ensures window[i] == s.buf[pos..pos + len][i]
    {
      assert Flat(s)[at + pos + i] == s.buf[pos + i];
    }
  }

  // ---------------------------------------------------------------- runs

  datatype Op =
    | Select(block: nat)
    | Read(pos: nat, len: nat)
    | Write(pos: nat, data: Bytes)
    | Commit

  /** The buffer and all bytes read so far. */
  datatype Run = Run(buffer: Buffer, output: Bytes)

  /** The reference: a flat device, the chosen block, and all bytes read so far. */
  datatype Direct = Direct(flat: Bytes, block: nat, open: bool, output: Bytes)

  predicate Legal(d: Direct, op: Op) {
    match op
    case Select(b) => HasBlock(d.flat, b)
    case Read(pos, len) => d.open && HasBlock(d.flat, d.block) && pos + len <= WIDTH
    case Write(pos, data) => d.open && HasBlock(d.flat, d.block) && pos + |data| <= WIDTH
    case Commit => true
  }

  function DirectStep(d: Direct, op: Op): Direct
    requires Legal(d, op)
  {
    match op
    case Select(b) => d.(block := b, open := true)
    case Read(pos, len) =>
      var at := d.block * WIDTH + pos;
      d.(output := d.output + d.flat[at..at + len])
    case Write(pos, data) => d.(flat := Splice(d.flat, d.block * WIDTH + pos, data))
    case Commit => d.(open := false)
  }

  /** The buffered run; its I/O succeeds. */
  function BufferedStep(r: Run, op: Op): Run
    requires Coherent(r.buffer) && Legal(View(r), op)
  {
    match op
    case Select(b) => r.(buffer := SetPos(r.buffer, b, Io(true, true)))
    case Read(pos, len) => r.(output := r.output + r.buffer.buf[pos..pos + len])
    case Write(pos, data) => r.(buffer := SetData(r.buffer, pos, data))
    case Commit => r.(buffer := Clear(r.buffer, true))
  }

  function View(r: Run): Direct
    requires Shape(r.buffer)
  {
    Direct(Flat(r.buffer), r.buffer.offs, r.buffer.active, r.output)
  }

  lemma {:induction false} SelectRefines(r: Run, b: nat)
    requires Coherent(r.buffer) && Legal(View(r), Select(b))
    ensures Coherent(BufferedStep(r, Select(b)).buffer)
    ensures View(BufferedStep(r, Select(b))) == DirectStep(View(r), Select(b))
  {
    SetPosIsInvisible(r.buffer, b);
  }

  lemma {:induction false} ReadRefines(r: Run, pos: nat, len: nat)
    requires Coherent(r.buffer) && Legal(View(r), Read(pos, len))
    ensures Coherent(BufferedStep(r, Read(pos, len)).buffer)
    ensures View(BufferedStep(r, Read(pos, len))) == DirectStep(View(r), Read(pos, len))
  {
    GetDataReadsFlat(r.buffer, pos, len);
  }

  lemma {:induction false} WriteRefines(r: Run, pos: nat, data: Bytes)
    requires Coherent(r.buffer) && Legal(View(r), Write(pos, data))
    ensures Coherent(BufferedStep(r, Write(pos, data)).buffer)
    ensures View(BufferedStep(r, Write(pos, data))) == DirectStep(View(r), Write(pos, data))
  {
    SetDataWritesFlat(r.buffer, pos, data);
  }

  /** Each buffered step is exactly the direct step, seen through View. */
  lemma {:induction false} StepRefines(r: Run, op: Op)
    requires Coherent(r.buffer) && Legal(View(r), op)
    ensures Coherent(BufferedStep(r, op).buffer)
    ensures View(BufferedStep(r, op)) == DirectStep(View(r), op)
  {
    match op
    case Select(b) => SelectRefines(r, b);
    case Read(pos, len) => ReadRefines(r, pos, len);
    case Write(pos, data) => WriteRefines(r, pos, data);
    case Commit => ClearFlushes(r.buffer);
  }

  predicate AllLegal(d: Direct, ops: seq<Op>)
    decreases |ops|
  {
    ops == [] || (Legal(d, ops[0]) && AllLegal(DirectStep(d, ops[0]), ops[1..]))
  }

  function DirectRun(d: Direct, ops: seq<Op>): Direct
    requires AllLegal(d, ops)
    decreases |ops|
  {
    if ops == [] then d else DirectRun(DirectStep(d, ops[0]), ops[1..])
  }

  function BufferedRun(r: Run, ops: seq<Op>): Run
    requires Coherent(r.buffer) && AllLegal(View(r), ops)
    decreases |ops|
  {
    if ops == [] then r
    else
      StepRefines(r, ops[0]);
      BufferedRun(BufferedStep(r, ops[0]), ops[1..])
  }

  /** Every legal sequence of selections, reads, writes and commits reads the same bytes and leaves the same contents as
      direct access to a flat device, and committing at the end puts those contents on the device. */
  lemma {:induction false} RunRefines(r: Run, ops: seq<Op>)
    requires Coherent(r.buffer) && AllLegal(View(r), ops)
    ensures var end := BufferedRun(r, ops);
            && Coherent(end.buffer) && View(end) == DirectRun(View(r), ops)
            && Clear(end.buffer, true).device == DirectRun(View(r), ops).flat
    decreases |ops|
  {
    if ops == [] {
      ClearFlushes(r.buffer);
    } else {
      StepRefines(r, ops[0]);
      RunRefines(BufferedStep(r, ops[0]), ops[1..]);
    }
  }

  // ---------------------------------------------------------------- the object

  class BlockBuffer {
    const buf: array<Byte>
    var offs: nat
    var dirty: bool
    var active: bool
    var device: Bytes

    ghost function Abstract(): Buffer
      reads this, buf
    {
      Buffer(device, buf[..], offs, dirty, active)
    }

    constructor (device: Bytes)
      ensures Coherent(Abstract()) && Flat(Abstract()) == device && !active && fresh(buf)
    {
      buf := new Byte[WIDTH];
      offs, dirty, active, this.device := 0, false, false, device;
    }

    method CopyIn(pos: nat, source: Bytes)
      requires pos + |source| <= buf.Length
      modifies buf
      ensures buf[..] == Splice(old(buf[..]), pos, source)
    {
      for i := 0 to |source|
        invariant forall j :: 0 <= j < buf.Length ==> buf[j] == if pos <= j < pos + i then source[j - pos] else old(buf[j])
      {
        buf[pos + i] := source[i];
      }
    }

    method StoreBlock(ok: bool)
      requires Shape(Abstract()) && active
      modifies this`device, this`dirty
      ensures Abstract() == WriteBlock(old(Abstract()), ok)
    {
      if !ok {
        return;
      }
      device := Splice(device, offs * WIDTH, buf[..]);
      dirty := false;
    }

    method LoadBlock(b: nat, ok: bool)
      requires buf.Length == WIDTH && HasBlock(device, b)
      modifies buf, this`dirty
      ensures Abstract() == if ok then old(Abstract()).(buf := Block(device, b), dirty := false) else old(Abstract())
    {
      if !ok {
        return;
      }
      CopyIn(0, Block(device, b));
      dirty := false;
    }

    method SelectBlock(b: nat, io: Io)
      requires Shape(Abstract()) && HasBlock(device, b)
      modifies this, buf
      ensures Abstract() == SetPos(old(Abstract()), b, io)
    {
      if b != offs || !active {
        if dirty && active {
          StoreBlock(io.writeOk);
        }
        offs := b;
        LoadBlock(b, io.readOk);
        active := true;
      }
    }

    method PutData(source: Bytes, pos: nat)
      requires Shape(Abstract()) && active && pos + |source| <= WIDTH
      modifies buf, this`dirty
      ensures Abstract() == SetData(old(Abstract()), pos, source)
    {
      CopyIn(pos, source);
      dirty := true;
    }

    method GetData(pos: nat, length: nat) returns (target: Bytes)
      requires Shape(Abstract()) && active && pos + length <= WIDTH
      ensures target == Flat(Abstract())[offs * WIDTH + pos..offs * WIDTH + pos + length]
    {
      target := buf[pos..pos + length];
      GetDataReadsFlat(Abstract(), pos, length);
      assert target == buf[..][pos..pos + length];
    }

    method ClearBuffer(ok: bool)
      requires Shape(Abstract())
      modifies this
      ensures Abstract() == Clear(old(Abstract()), ok)
    {
      if active && dirty {
        StoreBlock(ok);
      }
      active := false;
    }

    /** The data region of the controller's transport, writing. */
    method TransportWrite(targetBlock: nat, offset: nat, data: Bytes)
      requires Coherent(Abstract()) && HasBlock(device, targetBlock) && offset + |data| <= WIDTH
      modifies this, buf
      ensures Coherent(Abstract())
      ensures Flat(Abstract()) == Splice(Flat(old(Abstract())), targetBlock * WIDTH + offset, data)
    {
      ghost var before := Abstract();
      SetPosIsInvisible(before, targetBlock);
      SelectBlock(targetBlock, Io(true, true));
      SetDataWritesFlat(Abstract(), offset, data);
      PutData(data, offset);
    }

    /** The data region of the controller's transport, reading. */
    method TransportRead(targetBlock: nat, offset: nat, len: nat) returns (data: Bytes)
      requires Coherent(Abstract()) && HasBlock(device, targetBlock) && offset + len <= WIDTH
      modifies this, buf
      ensures Coherent(Abstract()) && Flat(Abstract()) == Flat(old(Abstract()))
      ensures data == Flat(old(Abstract()))[targetBlock * WIDTH + offset..targetBlock * WIDTH + offset + len]
    {
      ghost var before := Abstract();
      SetPosIsInvisible(before, targetBlock);
      SelectBlock(targetBlock, Io(true, true));
      data := GetData(offset, len);
    }
  }
}
