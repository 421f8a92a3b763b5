/** What several parts of the model share. */
module Common {
  /** An unsigned int holds less than this. */
  const UINT_LIMIT := 0x1_0000_0000

  /** The most blocks that one file system call may write (param.h). */
  const MAXOPBLOCKS := 10

  datatype Option<+T> = None | Some(value: T)

  /** s without its element at i. */
  function Remove<T>(s: seq<T>, i: nat): seq<T>
    requires i < |s|
  {
    s[..i] + s[i + 1..]
  }
}
