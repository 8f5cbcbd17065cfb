/**
 The flags of a peer (agent/router/peermon/peerlist/peerinfo.go).
 */
module PeerFlags {

  const PIF_NONE: bv8 := 0x00
  const PIF_ADD_PENDING: bv8 := 0x01
  const PIF_DEL_PENDING: bv8 := 0x02
  const PIF_DISABLED: bv8 := 0x08

  predicate HasFlag(flags: bv8, f: bv8) {
    flags & f == f
  }

  function WithFlag(flags: bv8, f: bv8): bv8 {
    flags | f
  }

  function WithoutFlag(flags: bv8, f: bv8): bv8 {
    flags & !f
  }

  // An addition takes back a deletion; a peer that is disabled stays so.
  function AddedFlags(flags: bv8, disabled: bool): bv8 {
    var pending := WithoutFlag(WithFlag(flags, PIF_ADD_PENDING), PIF_DEL_PENDING);
    if disabled then WithFlag(pending, PIF_DISABLED) else pending
  }

  function DeletedFlags(flags: bv8): bv8 {
    WithFlag(flags, PIF_DEL_PENDING)
  }

  predicate IsFlag(f: bv8) {
    f == PIF_ADD_PENDING || f == PIF_DEL_PENDING || f == PIF_DISABLED
  }

  /** Setting and clearing one flag leaves the others alone. */
  lemma FlagBits(flags: bv8, f: bv8, g: bv8)
    requires IsFlag(f) && IsFlag(g)
    ensures HasFlag(WithFlag(flags, f), g) <==> g == f || HasFlag(flags, g)
    ensures HasFlag(WithoutFlag(flags, f), g) <==> g != f && HasFlag(flags, g)
    ensures WithoutFlag(WithoutFlag(flags, f), f) == WithoutFlag(flags, f)
    ensures !HasFlag(PIF_NONE, g)
  {
  }

  /** Adding asks for an addition and takes back a deletion; only adding with a conflict disables, and it never enables.
      Deleting asks for a deletion, and changes nothing else. */
  lemma PendingFlags(flags: bv8, disabled: bool, g: bv8)
    requires IsFlag(g)
    ensures HasFlag(AddedFlags(flags, disabled), g) <==>
            g == PIF_ADD_PENDING || (g == PIF_DISABLED && (disabled || HasFlag(flags, PIF_DISABLED)))
    ensures HasFlag(DeletedFlags(flags), g) <==> g == PIF_DEL_PENDING || HasFlag(flags, g)
  {
    var f1 := WithFlag(flags, PIF_ADD_PENDING);
    var f2 := WithoutFlag(f1, PIF_DEL_PENDING);
    FlagBits(flags, PIF_ADD_PENDING, g);
    FlagBits(f1, PIF_DEL_PENDING, g);
    FlagBits(f2, PIF_DISABLED, g);
    FlagBits(flags, PIF_DEL_PENDING, g);
    hide WithFlag, WithoutFlag, HasFlag;
  }

  // The test of HasPeer as Go groups it: the mask binds tighter than the alternative.
  predicate IsOffered(flags: bv8) {
    ((flags & PIF_DEL_PENDING) | PIF_DISABLED) == 0
  }

  lemma NeverOffered(flags: bv8)
    ensures !IsOffered(flags)
  {
  }
}
