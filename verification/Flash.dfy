/**
 The zone_fw data partition as NOR flash: an erase sets whole sectors to 0xFF and a
 write can only clear bits. The esp_partition driver is outside the repository; what
 its callers rely on is written here, including how an operation may fail half-way:
 an erase stops after some of its sectors, a write after some of its bytes.
 */
module Flash {

  const SECTOR: nat := 4096

  datatype Op = Erase(off: nat, n: nat) | Program(off: nat, data: seq<bv8>)

  /** Programming a NOR cell: a 0 bit stays 0. */
  function And(cell: bv8, data: bv8): bv8 { cell & data }

  function Apply(m: seq<bv8>, op: Op): (r: seq<bv8>)
    ensures |r| == |m|
  {
    match op
    case Erase(off, n) => seq(|m|, i requires 0 <= i < |m| => if off <= i < off + n then 0xFF else m[i])
    case Program(off, data) =>
      seq(|m|, i requires 0 <= i < |m| => if off <= i < off + |data| then And(m[i], data[i - off]) else m[i])
  }

  /** The contents after a history of operations. */
  function Replay(m: seq<bv8>, ops: seq<Op>): (r: seq<bv8>)
    ensures |r| == |m|
  {
    if ops == [] then m else Apply(Replay(m, ops[..|ops| - 1]), ops[|ops| - 1])
  }

  lemma {:induction false} ReplayAppend(m: seq<bv8>, a: seq<Op>, b: seq<Op>)
    ensures Replay(m, a + b) == Replay(Replay(m, a), b)
  {
    hide Apply;
    if b == [] {
      assert a + b == a;
    } else {
      assert (a + b)[..|a + b| - 1] == a + b[..|b| - 1];
      ReplayAppend(m, a, b[..|b| - 1]);
    }
  }

  lemma ReplayStep(m: seq<bv8>, ops: seq<Op>, op: Op)
    ensures Replay(m, ops + [op]) == Apply(Replay(m, ops), op)
  {
    hide Apply;
    assert (ops + [op])[..|ops|] == ops;
  }

  method EraseBytes(mem: array<bv8>, off: nat, n: nat)
    requires off + n <= mem.Length
    modifies mem
    ensures mem[..] == Apply(old(mem[..]), Erase(off, n))
  {
    for i := 0 to n
      invariant forall k :: off <= k < off + i ==> mem[k] == 0xFF
      invariant forall k :: 0 <= k < off || off + i <= k < mem.Length ==> mem[k] == old(mem[k])
    {
      mem[off + i] := 0xFF;
    }
  }

  method ProgramBytes(mem: array<bv8>, off: nat, data: seq<bv8>)
    requires off + |data| <= mem.Length
    modifies mem
    ensures mem[..] == Apply(old(mem[..]), Program(off, data))
  {
    hide And;
    for i := 0 to |data|
      invariant forall k :: off <= k < off + i ==> mem[k] == And(old(mem[k]), data[k - off])
      invariant forall k :: 0 <= k < off || off + i <= k < mem.Length ==> mem[k] == old(mem[k])
    {
      mem[off + i] := And(mem[off + i], data[i]);
    }
  }

  /**
   esp_partition_t. `log` records every operation the chip carried out, so a power cut
   is a prefix of it; `faults` counts those it could not carry out in full.
   */
  class Partition {
    const mem: array<bv8>
    ghost const base: seq<bv8>
    ghost var log: seq<Op>
    ghost var faults: nat

    ghost predicate Valid()
      reads this, mem
    {
      && mem.Length % SECTOR == 0 && SECTOR <= mem.Length <= 0xFF00_0000
      && mem.Length == |base|
      && mem[..] == Replay(base, log)
    }

    constructor (contents: seq<bv8>)
      requires |contents| % SECTOR == 0 && SECTOR <= |contents| <= 0xFF00_0000
      ensures Valid() && fresh(mem) && base == contents && log == [] && faults == 0 && mem[..] == contents
    {
      var m := new bv8[|contents|](i requires 0 <= i < |contents| => contents[i]);
      mem := m;
      base := contents;
      log, faults := [], 0;
      assert m[..] == contents;
    }

    /** esp_partition_erase_range: `done` bytes were erased, all of them when it reports success. */
    method EraseRange(off: nat, n: nat) returns (ok: bool, ghost done: nat)
      requires Valid()
      modifies this`log, this`faults, mem
      ensures Valid() && faults >= old(faults)
      ensures off % SECTOR == 0 && n % SECTOR == 0 && off + n <= mem.Length ==> (ok <==> faults == old(faults))
      ensures ok ==> done == n && off + n <= mem.Length
      ensures done <= n && done % SECTOR == 0
      ensures log == if done == 0 then old(log) else old(log) + [Erase(off, done)]
      ensures done == 0 ==> mem[..] == old(mem[..])
      ensures !ok && off % SECTOR == 0 && n % SECTOR == 0 && 0 < n && off + n <= mem.Length ==> done < n
    {
      hide Apply, Replay;
      if off % SECTOR != 0 || n % SECTOR != 0 || off + n > mem.Length {
        ok, done := false, 0;
        return;
      }
      var stop: int := *;
      var len := if 0 <= stop < n / SECTOR then stop * SECTOR else n;
      done := len;
      ok := len == n;
      if !ok { faults := faults + 1; }
      if len == 0 { return; }
      EraseBytes(mem, off, len);
      ReplayStep(base, log, Erase(off, len));
      log := log + [Erase(off, len)];
    }

    /** esp_partition_write: `done` bytes were programmed, all of them when it reports success. */
    method Write(off: nat, data: seq<bv8>) returns (ok: bool, ghost done: nat)
      requires Valid()
      modifies this`log, this`faults, mem
      ensures Valid() && faults >= old(faults)
      ensures ok <==> off + |data| <= mem.Length && faults == old(faults)
      ensures ok ==> done == |data| && off + done <= mem.Length
      ensures done <= |data|
      ensures log == if done == 0 then old(log) else old(log) + [Program(off, data[..done])]
    {
      hide Apply, Replay;
      if off + |data| > mem.Length {
        ok, done := false, 0;
        return;
      }
      var stop: int := *;
      var len := if 0 <= stop < |data| then stop else |data|;
      done := len;
      ok := len == |data|;
      if !ok { faults := faults + 1; }
      if len == 0 { return; }
      ProgramBytes(mem, off, data[..len]);
      ReplayStep(base, log, Program(off, data[..len]));
      log := log + [Program(off, data[..len])];
    }

    /** esp_partition_read: an I/O error or the bytes as they are. */
    method Read(off: nat, n: nat) returns (ok: bool, data: seq<bv8>)
      requires Valid()
      modifies this`faults
      ensures Valid() && faults >= old(faults)
      ensures ok <==> off + n <= mem.Length && faults == old(faults)
      ensures ok ==> data == mem[off..off + n]
    {
      if off + n > mem.Length { return false, []; }
      var io: bool := *;
      if io {
        faults := faults + 1;
        return false, [];
      }
      return true, mem[off..off + n];
    }
  }
}
