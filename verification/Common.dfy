/** What several parts of the model share. */
module Common {
  datatype Option<T> = None | Some(value: T)

  const TWO_TO_THE_64: nat := 0x1_0000_0000_0000_0000

  /** A number as the source's unsigned 64-bit arithmetic leaves it. */
  function U64(x: int): (r: nat) {
    x % TWO_TO_THE_64
  }

  lemma TwiceInMultiset<T>(s: seq<T>, i: nat, j: nat)
    requires i < j < |s| && s[i] == s[j]
    ensures multiset(s)[s[i]] >= 2
  {
    assert s == s[..i] + [s[i]] + s[i + 1..j] + [s[j]] + s[j + 1..];
  }
}
