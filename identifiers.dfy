/** The random request identifier (`randID`, groundgopher.go) and the user agent built from it.
    `rand.Intn(len(charSet))` is an injected oracle: `draw(i)` is the index the `i`-th call
    returns, and its type already says what `rand.Intn` promises, an index into `charSet`. */
module Identifiers {

  /** `charSet`: the 36 runes an identifier is drawn from. */
  const CharSet: string := "1234567890abcdefghijklmnopqrstuvwxyz"

  /** The number of runes `randID` writes. */
  const IdLength: nat := 10

  /** The fixed part of the user agent a worker sends. */
  const UserAgentPrefix: string := "groundgopher-"

  /** What `rand.Intn(len(charSet))` can return. */
  type CharIndex = i: nat | i < 36

  /** `id` is the identifier the draws `draw(0)`, ..., `draw(IdLength - 1)` spell. */
  predicate SpelledBy(id: string, draw: nat -> CharIndex) {
    |id| == IdLength && forall j :: 0 <= j < |id| ==> id[j] == CharSet[draw(j)]
  }

  /** `randID`: ten runes, each the `charSet` rune at the next drawn index. */
  method RandID(draw: nat -> CharIndex) returns (id: string)
    ensures SpelledBy(id, draw)
    ensures forall j :: 0 <= j < |id| ==> id[j] in CharSet
  {
    id := "";
    var i := 0;
    while i < IdLength
      invariant 0 <= i <= IdLength
      invariant |id| == i
      invariant forall j :: 0 <= j < i ==> id[j] == CharSet[draw(j)]
    {
      var random := draw(i);
      id := id + [CharSet[random]];
      i := i + 1;
    }
  }

  /** `fmt.Sprintf("groundgopher-%s", id)`: the prefix, then the identifier unchanged. */
  function UserAgent(id: string): (ua: string)
    ensures |ua| == |UserAgentPrefix| + |id|
    ensures ua[..|UserAgentPrefix|] == UserAgentPrefix
    ensures ua[|UserAgentPrefix|..] == id
  {
    UserAgentPrefix + id
  }

  /** A user agent built from an identifier that `RandID` produced is 23 runes long, and everything
      after the prefix lies in `charSet`. */
  lemma UserAgentOfRandID(id: string, draw: nat -> CharIndex)
    requires SpelledBy(id, draw)
    ensures |UserAgent(id)| == 23
    ensures forall j :: |UserAgentPrefix| <= j < |UserAgent(id)| ==> UserAgent(id)[j] in CharSet
  {
    forall j | |UserAgentPrefix| <= j < |UserAgent(id)|
      ensures UserAgent(id)[j] in CharSet
    {
      assert UserAgent(id)[j] == id[j - |UserAgentPrefix|];
    }
  }
}
