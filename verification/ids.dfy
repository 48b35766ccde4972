/** Identifier generation (apps/backend/src/shared/id.ts): a type prefix,
    an underscore, and six random bytes in lower-case hex. The random bytes
    are a parameter. */
module Ids {
  import opened Wrappers
  import opened Octets
  import opened Text
  import Hex

  type Random6 = b: Bytes | |b| == 6 witness [0, 0, 0, 0, 0, 0]

  function CreateId(prefix: string, random: Random6): (id: string)
    ensures |id| == |prefix| + 13
    ensures id[..|prefix|] == prefix && id[|prefix|] == '_'
    ensures forall i :: |prefix| < i < |id| ==> Hex.IsLowerHex(id[i])
  {
    prefix + "_" + Hex.Encode(random)
  }

  /** Position of the last occurrence of `c`. */
  function LastIndexOf(s: string, c: char): (r: Option<nat>)
    ensures r.Some? ==> r.value < |s| && s[r.value] == c
    ensures r.Some? ==> forall j :: r.value < j < |s| ==> s[j] != c
    ensures r.None? ==> c !in s
  {
    if |s| == 0 then None
    else if s[|s| - 1] == c then Some(|s| - 1)
    else LastIndexOf(s[..|s| - 1], c)
  }

  /** Hex digits contain no underscore, so the text before the last "_"
      of an id is its prefix, whatever the prefix itself contains. */
  lemma PrefixBeforeLastUnderscore(prefix: string, random: Random6)
    ensures LastIndexOf(CreateId(prefix, random), '_') == Some(|prefix|)
    ensures CreateId(prefix, random)[..LastIndexOf(CreateId(prefix, random), '_').value] == prefix
  {
  }

  /** Ids minted with different prefixes never collide. */
  lemma DistinctPrefixesNeverCollide(p1: string, p2: string, r1: Random6, r2: Random6)
    requires p1 != p2
    ensures CreateId(p1, r1) != CreateId(p2, r2)
  {
    PrefixBeforeLastUnderscore(p1, r1);
    PrefixBeforeLastUnderscore(p2, r2);
  }

  /** Under one prefix the id determines the random bytes. */
  lemma SamePrefixDistinctRandom(prefix: string, r1: Random6, r2: Random6)
    requires r1 != r2
    ensures CreateId(prefix, r1) != CreateId(prefix, r2)
  {
    Hex.DecodeEncode(r1);
    Hex.DecodeEncode(r2);
    var id1 := CreateId(prefix, r1);
    var id2 := CreateId(prefix, r2);
    assert id1[|prefix| + 1..] == Hex.Encode(r1);
    assert id2[|prefix| + 1..] == Hex.Encode(r2);
  }
}
