/** Machine words and counting. */
module Words {

  const U64_MAX: nat := 0xFFFF_FFFF_FFFF_FFFF

  function One(b: bool): nat {
    if b then 1 else 0
  }
}
