/** Values shared by every component: octets, tagged octets and error numbers. */
module Wire {

  type Byte = x: int | 0 <= x < 256

  /** One octet of transport stream, with the number of successful retunes that had
      finished when its USB transfer was stamped. Only statements read `origin`. */
  datatype Cell = Cell(value: Byte, origin: nat)

  /** Bytes of a transport packet, and the byte every packet starts with. */
  const PACKET: nat := 188
  const SYNC: Byte := 0x47

  /** Largest USB transfer, which is also the largest feed of the output pump. */
  const TRANSFER_SIZE: nat := 16384

  const EINTR := 4
  const EIO := 5
  const EAGAIN := 11
  const ENOMEM := 12
  const EBUSY := 16
  const EINVAL := 22
  const EBADMSG := 74
  const EOVERFLOW := 75
  const EMSGSIZE := 90
  const ENOBUFS := 105
  const ESHUTDOWN := 108
  const EALREADY := 114
  const ECANCELED := 125

  const UINT32_MAX: nat := 0xFFFF_FFFF
  const UINT64_MAX: nat := 0xFFFF_FFFF_FFFF_FFFF

  datatype Option<+T> = None | Some(value: T)

  /** Pieces put together again. */
  function Concat<T>(pieces: seq<seq<T>>): seq<T> {
    if pieces == [] then [] else pieces[0] + Concat(pieces[1..])
  }
}
