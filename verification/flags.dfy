/** The start-up check that no address is given twice for a repeatable address flag
    (`--query` of the ruler, `--store` of the querier). */
module Flags {
  import opened Wrappers
  import opened Collections

  /** "Address %s is duplicated for %s flag." */
  datatype FlagError = DuplicatedAddress(addr: string, flag: string)

  /** The address reported as duplicated, if any: the first value that repeats an
      earlier one. `None` means start-up goes on. */
  method FindDuplicateFlag(values: seq<string>) returns (dup: Option<string>)
    ensures dup.None? <==> NoDuplicates(values)
    ensures dup.Some? ==> exists j :: 0 <= j < |values| && values[j] == dup.value
                                      && dup.value in values[..j] && NoDuplicates(values[..j])
  {
    var lookup: set<string> := {};
    for i := 0 to |values|
      invariant lookup == ToSet(values[..i])
      invariant NoDuplicates(values[..i])
    {
      if values[i] in lookup {
        assert !NoDuplicates(values) by {
          var k :| 0 <= k < i && values[k] == values[i];
        }
        return Some(values[i]);
      }
      assert values[..i + 1] == values[..i] + [values[i]];
      ToSetSnoc(values[..i], values[i]);
      lookup := lookup + {values[i]};
    }
    assert values[..|values|] == values;
    return None;
  }
}
