/**
 * The echo endpoint: the `input` query value shown unchanged, by length and
 * reversed. The runtime's strings are sequences of UTF-16 code units, and
 * `length`, `split('')` and `join('')` work unit by unit, so the echo text is
 * modelled as a sequence of code units rather than of Unicode characters.
 */
module Echo {
  import opened Wrappers

  /** One UTF-16 code unit; surrogate halves (D800-DFFF) included. */
  newtype CodeUnit = x: int | 0 <= x < 0x1_0000

  /** A runtime string, as its code units. */
  type Text = seq<CodeUnit>

  /** `s.split('').reverse().join('')`: the elements of `s` back to front. */
  function Reverse<T>(s: seq<T>): (r: seq<T>)
    ensures |r| == |s|
    ensures forall i :: 0 <= i < |s| ==> r[i] == s[|s| - 1 - i]
  {
    if s == [] then [] else Reverse(s[1..]) + [s[0]]
  }

  /** Reversing twice gives back the original sequence. */
  lemma ReverseReverse<T>(s: seq<T>)
    ensures Reverse(Reverse(s)) == s
  {
    var r := Reverse(s);
    assert forall i :: 0 <= i < |s| ==> Reverse(r)[i] == r[|s| - 1 - i] == s[i];
  }

  /** The JSON body of an echo reply, without the upper-cased field. */
  datatype EchoReply = EchoReply(normal: Text, charCount: nat, backwards: Text)

  /**
   * The reply to an echo request whose `input` parameter is `input`; a
   * missing parameter reads as the empty string. `charCount` counts code
   * units, so a character outside the Basic Multilingual Plane counts 2.
   */
  function Respond(input: Option<Text>): (r: EchoReply)
    ensures r.normal == (if input.Some? then input.value else [])
    ensures r.charCount == |r.normal| == |r.backwards|
    ensures forall i :: 0 <= i < r.charCount ==>
      r.backwards[i] == r.normal[r.charCount - 1 - i]
  {
    var s := input.GetOr([]);
    EchoReply(s, |s|, Reverse(s))
  }

  /** `backwards` reversed is `normal` again. */
  lemma BackwardsReversesToNormal(input: Option<Text>)
    ensures Reverse(Respond(input).backwards) == Respond(input).normal
  {
    var r := Respond(input);
    assert r.backwards == Reverse(r.normal);
    ReverseReverse(r.normal);
  }

  /** A missing input answers with the empty string, 0 and the empty string. */
  lemma MissingInput()
    ensures Respond(None) == EchoReply([], 0, [])
    ensures Respond(None) == Respond(Some([]))
  {
  }

  /**
   * A character written as a surrogate pair (U+1F600, as D83D DE00) counts as
   * two, and comes back with its halves swapped.
   */
  lemma SurrogatePairSplit()
    ensures Respond(Some([0xD83D, 0xDE00])) == EchoReply([0xD83D, 0xDE00], 2, [0xDE00, 0xD83D])
  {
    var s: Text := [0xD83D, 0xDE00];
    assert Reverse(s)[0] == 0xDE00 && Reverse(s)[1] == 0xD83D;
  }
}
