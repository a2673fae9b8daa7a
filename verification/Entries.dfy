/**
 Submission and completion entries, and how an operation is written into a submission slot.

 A slot is an element of the shared SQE array and is overwritten field by field, in place.
 Addresses (of buffers, socket addresses and timespecs) are opaque integers.
 */
module Entries {
  import opened Words

  /** SQE flag, opcodes and user data values the library itself uses. */
  const SQE_IO_LINK: nat := 4
  const ASYNC_CANCEL_CODE: nat := 14
  const LINK_TIMEOUT_CODE: nat := 15
  const LIB_USER_DATA_TIMEOUT: uint64 := 0xFFFF_FFFF_FFFF_FFFF

  datatype SQEntry = SQEntry(
    opCode: nat, flags: nat, ioPrio: nat, fd: int, off: int, addr: int, len: nat,
    opcodeFlags: nat, userData: uint64, bufIG: nat, personality: nat, spliceFdIn: int,
    pad0: nat, pad1: nat)

  datatype CQEvent = CQEvent(userData: uint64, res: int, flags: nat)

  datatype Option<+T> = None | Some(value: T)

  /**
   An operation, as far as its PrepSQE goes: the arguments it passes to `fill`, and the
   fields it overwrites afterwards (OpcodeFlags for accept, recv, send and cancel, BufIG
   for provide-buffers).
   */
  datatype Operation = Operation(
    code: nat, fd: int, addr: int, len: nat, off: int,
    opcodeFlags: Option<nat>, bufferGroup: Option<nat>)

  function LinkTimeout(duration: int): Operation {
    Operation(LINK_TIMEOUT_CODE, -1, duration, 1, 0, None, None)
  }

  function Cancel(target: uint64): Operation {
    Operation(ASYNC_CANCEL_CODE, -1, target, 0, 0, Some(0), None)
  }

  /** What the kernel must read for an operation queued with these flags and user data. */
  function Entry(op: Operation, flags: nat, userData: uint64): SQEntry {
    SQEntry(
      op.code, flags, 0, op.fd, op.off, op.addr, op.len,
      if op.opcodeFlags.Some? then op.opcodeFlags.value else 0,
      userData,
      if op.bufferGroup.Some? then op.bufferGroup.value else 0,
      0, 0, 0, 0)
  }

  /**
   What the kernel finds in an entry, field by field: the arguments of the operation, the caller's flags and user data,
   and zero wherever the operation has nothing to say.
   */
  predicate Holds(e: SQEntry, op: Operation, flags: nat, userData: uint64) {
    && e.opCode == op.code && e.fd == op.fd && e.addr == op.addr && e.len == op.len && e.off == op.off
    && e.flags == flags && e.userData == userData
    && e.opcodeFlags == OrZero(op.opcodeFlags) && e.bufIG == OrZero(op.bufferGroup)
    && e.ioPrio == 0 && e.personality == 0 && e.spliceFdIn == 0 && e.pad0 == 0 && e.pad1 == 0
  }

  function OrZero(field: Option<nat>): nat {
    if field.Some? then field.value else 0
  }

  lemma EntryHolds(op: Operation, flags: nat, userData: uint64)
    ensures forall e :: Holds(e, op, flags, userData) <==> e == Entry(op, flags, userData)
  {
  }

  /** Equal entries come from the same operation, up to fields that are unset or set to zero. */
  lemma EntryTells(op: Operation, op': Operation, flags: nat, flags': nat, userData: uint64, userData': uint64)
    requires Entry(op, flags, userData) == Entry(op', flags', userData')
    ensures op' == op.(opcodeFlags := op'.opcodeFlags, bufferGroup := op'.bufferGroup)
    ensures OrZero(op.opcodeFlags) == OrZero(op'.opcodeFlags) && OrZero(op.bufferGroup) == OrZero(op'.bufferGroup)
    ensures flags == flags' && userData == userData'
  {
    hide Entry;
    EntryHolds(op, flags, userData);
    EntryHolds(op', flags', userData');
    var e := Entry(op, flags, userData);
    assert Holds(e, op, flags, userData) && Holds(e, op', flags', userData');
  }

  method Fill(sqes: array<SQEntry>, i: nat, code: nat, fd: int, addr: int, len: nat, off: int)
    requires i < sqes.Length
    modifies sqes
    ensures sqes[..] == old(sqes[..])[i := SQEntry(code, 0, 0, fd, off, addr, len, 0, 0, 0, 0, 0, 0, 0)]
  {
    sqes[i] := sqes[i].(opCode := code);
    sqes[i] := sqes[i].(flags := 0);
    sqes[i] := sqes[i].(ioPrio := 0);
    sqes[i] := sqes[i].(fd := fd);
    sqes[i] := sqes[i].(off := off);
    sqes[i] := sqes[i].(addr := addr);
    sqes[i] := sqes[i].(len := len);
    sqes[i] := sqes[i].(opcodeFlags := 0);
    sqes[i] := sqes[i].(userData := 0);
    sqes[i] := sqes[i].(bufIG := 0);
    sqes[i] := sqes[i].(personality := 0);
    sqes[i] := sqes[i].(spliceFdIn := 0);
    sqes[i] := sqes[i].(pad0 := 0);
    sqes[i] := sqes[i].(pad1 := 0);
  }

  /** After PrepSQE nothing of the slot's previous contents is left. */
  method PrepSqe(sqes: array<SQEntry>, i: nat, op: Operation)
    requires i < sqes.Length
    modifies sqes
    ensures sqes[..] == old(sqes[..])[i := Entry(op, 0, 0)] && Holds(sqes[i], op, 0, 0)
  {
    Fill(sqes, i, op.code, op.fd, op.addr, op.len, op.off);
    if op.opcodeFlags.Some? {
      sqes[i] := sqes[i].(opcodeFlags := op.opcodeFlags.value);
    }
    if op.bufferGroup.Some? {
      sqes[i] := sqes[i].(bufIG := op.bufferGroup.value);
    }
  }
}
