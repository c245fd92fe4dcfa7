/** quic-go-bbr/quicvarint/varint.go: how long a variable-length integer is. */
module VarintLen {
  const MAX_VARINT1: nat := 63
  const MAX_VARINT2: nat := 16383
  const MAX_VARINT4: nat := 1073741823
  const MAX_VARINT8: nat := 4611686018427387903

  /** The number of bytes needed to write `i`; the original panics above MAX_VARINT8. */
  function Len(i: nat): (n: nat)
    requires i <= MAX_VARINT8
  {
    if i <= MAX_VARINT1 then 1
    else if i <= MAX_VARINT2 then 2
    else if i <= MAX_VARINT4 then 4
    else 8
  }
}
