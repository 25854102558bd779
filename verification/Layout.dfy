/** Sizes that several parts of the system agree on at compile time. */
module Layout {

  /** CONSUMER_BUFFER_SIZE: one buffer in shared memory and one block of a raw file. */
  const BLOCK: nat := 1048576

  /** ALLOCATION_SIZE: the shared memory of one thread, and the compressor's output buffer. */
  const ALLOCATION: nat := 2097152

  const PAGE: nat := 4096

  /** One more than the largest unsigned int. */
  const UINT_LIMIT: nat := 0x1_0000_0000
}
