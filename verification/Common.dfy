/** What several modules share. */
module Common {
  datatype Option<+T> = None | Some(value: T)

  /** Sequence numbers have 32 bits. */
  const SEQ_WRAP: nat := 0x1_0000_0000
  const SSH_MSG_NEWKEYS: nat := 21

  function Min(a: nat, b: nat): nat { if a < b then a else b }

  lemma Regroup<T>(a: seq<T>, b: seq<T>, c: seq<T>)
    ensures a + b + c == a + (b + c)
  {
  }
}
