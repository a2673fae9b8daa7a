/** Request identifiers of the network reactor: a file descriptor and a nonce packed in 64 bits. */
module RequestIds {
  import opened Words

  const TIMEOUT_NONCE: uint64 := 0xFFFF_FFFF_FFFF_FFFF
  const CANCEL_NONCE: uint64 := 0xFFFF_FFFF_FFFF_FFFE

  predicate Reserved(ud: uint64) {
    ud == TIMEOUT_NONCE || ud == CANCEL_NONCE
  }

  /** Go's `uint64(x)` for a 64-bit signed `x`. */
  function ToUnsigned(x: int): nat
    requires -0x8000_0000_0000_0000 <= x < 0x8000_0000_0000_0000
  {
    if x < 0 then x + 0x1_0000_0000_0000_0000 else x
  }

  /** `uint64(fd) | uint64(nonce) << 32` */
  function Pack(fd: int, nonce: uint32): nat
    requires -0x8000_0000_0000_0000 <= fd < 0x8000_0000_0000_0000
  {
    BitOr(ToUnsigned(fd), nonce * Pow2(32))
  }

  /** `id & math.MaxUint32`, which are the low 32 bits. */
  function Fd(id: nat): (fd: nat)
    ensures fd == id % 0x1_0000_0000
  {
    MaskIsMod(id, 32);
    Pow2Is32();
    BitAnd(id, Pow2(32) - 1)
  }

  /** `uint32(id >> 32)` */
  function Nonce(id: nat): uint32 {
    id / 0x1_0000_0000 % 0x1_0000_0000
  }

  lemma PackIs(fd: int, nonce: uint32)
    requires 0 <= fd < 0x1_0000_0000
    ensures Pack(fd, nonce) == fd + nonce * 0x1_0000_0000 < 0x1_0000_0000_0000_0000
  {
    Pow2Is32();
    OrIsSum(fd, nonce, 32);
  }

  /** Unpacking gives back what was packed exactly for descriptors that fit 32 bits. */
  lemma RoundTrip(fd: int, nonce: uint32)
    requires -0x8000_0000_0000_0000 <= fd < 0x8000_0000_0000_0000
    ensures Fd(Pack(fd, nonce)) == fd && Nonce(Pack(fd, nonce)) == nonce <==> 0 <= fd < 0x1_0000_0000
  {
    hide Fd, Pack;
    if 0 <= fd < 0x1_0000_0000 {
      PackIs(fd, nonce);
    }
  }

  /** Every 64-bit value is the identifier of the descriptor and nonce it unpacks to. */
  lemma UnpackThenPack(id: uint64)
    ensures Pack(Fd(id), Nonce(id)) == id
  {
    hide Fd, Pack;
    PackIs(Fd(id), Nonce(id));
  }

  /** An identifier is a reserved value only for the two largest 32-bit descriptors, which no file can have. */
  lemma ReservedIff(fd: int, nonce: uint32)
    requires 0 <= fd < 0x1_0000_0000
    ensures Pack(fd, nonce) < 0x1_0000_0000_0000_0000
    ensures Reserved(Pack(fd, nonce)) <==> nonce == 0xFFFF_FFFF && fd >= 0xFFFF_FFFE
  {
    hide Pack;
    PackIs(fd, nonce);
  }
}
