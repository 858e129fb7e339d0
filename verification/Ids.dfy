/** Link UIDs, VXLAN network identifiers (VNIs) and the keys of the per-link mutexes
    (`common/utils.go`).  UIDs are `int64`, VNIs are `int32`; both conversions wrap. */
module Ids {

  const VXLAN_BASE := 5000
  const TWO_31 := 0x8000_0000
  const TWO_32 := 0x1_0000_0000
  const TWO_63 := 0x8000_0000_0000_0000
  const TWO_64 := 0x1_0000_0000_0000_0000

  /** The largest UID whose VNI still fits the 24-bit field of section 5 of RFC 7348. */
  const MAX_UID := 0x100_0000 - VXLAN_BASE - 1

  predicate IsInt32(x: int) { -TWO_31 <= x < TWO_31 }

  predicate IsInt64(x: int) { -TWO_63 <= x < TWO_63 }

  /** A VNI that the kernel accepts. */
  predicate IsVni24(vni: int) { 0 <= vni < 0x100_0000 }

  /** Two's-complement conversion to 32 bits. */
  function Wrap32(x: int): (r: int)
    ensures IsInt32(r)
    ensures IsInt32(x) ==> r == x
  {
    (x + TWO_31) % TWO_32 - TWO_31
  }

  /** Two's-complement conversion to 64 bits. */
  function Wrap64(x: int): (r: int)
    ensures IsInt64(r)
    ensures IsInt64(x) ==> r == x
  {
    (x + TWO_63) % TWO_64 - TWO_63
  }

  /** Counting up commutes with the wrap. */
  lemma WrapSuccessor(x: int)
    ensures Wrap64(Wrap64(x) + 1) == Wrap64(x + 1)
  {
    var y := x + TWO_63;
    assert y == y / TWO_64 * TWO_64 + y % TWO_64;
    assert y + 1 == if y % TWO_64 + 1 == TWO_64 then (y / TWO_64 + 1) * TWO_64
                    else y / TWO_64 * TWO_64 + (y % TWO_64 + 1);
  }

  lemma WrapOpposite(x: int)
    requires 0 < x < TWO_63
    ensures Wrap64(TWO_64 - x) == -x
  {
    assert TWO_64 - x + TWO_63 == TWO_64 + (TWO_63 - x);
  }

  /** `GetVniFromUid`: the 64-bit sum is taken first, then truncated. */
  function VniFromUid(uid: int): int {
    Wrap32(Wrap64(VXLAN_BASE + uid))
  }

  /** `GetUidFromVni`: the subtraction is done in 32 bits, then widened. */
  function UidFromVni(vni: int): int {
    Wrap32(vni - VXLAN_BASE)
  }

  /** The mutex key that `addLink` uses (the UID) and the one that the remote `Update` rebuilds
      from the VNI on the wire are the same exactly when the UID fits in 32 bits. */
  lemma BothEndsLockTheSameKey(uid: int)
    requires IsInt64(uid)
    ensures UidFromVni(VniFromUid(uid)) == uid <==> IsInt32(uid)
  {
  }

  /** Every UID beyond 32 bits is locked under another key by the remote end, and shares its VNI with the link of that
      other UID. */
  lemma WideUidsCollide(uid: int)
    requires IsInt64(uid) && !IsInt32(uid)
    ensures var other := UidFromVni(VniFromUid(uid));
            other != uid && IsInt32(other) && VniFromUid(other) == VniFromUid(uid)
  {
  }

  /** On the supported range VNIs are valid 24-bit identifiers, determine the UID, and lead back to it. */
  lemma SupportedUids(uid: int, other: int)
    requires 0 <= uid <= 16772215 && 0 <= other <= 16772215
    ensures VniFromUid(uid) == 5000 + uid && 0 <= VniFromUid(uid) < 16777216
    ensures UidFromVni(VniFromUid(uid)) == uid
    ensures VniFromUid(uid) == VniFromUid(other) <==> uid == other
  {
  }

  /** The supported range is the widest one starting at 0: the next UID has no valid VNI. */
  lemma SupportedRangeIsMaximal()
    ensures MAX_UID == 16772215 && !IsVni24(VniFromUid(MAX_UID + 1))
  {
  }
}
