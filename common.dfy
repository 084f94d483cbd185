/** Small value types shared by the stages. */
module Common {

  /** Python's `None` or a value. */
  datatype Option<T> = None | Some(value: T)

  /** What one call of an unreliable external operation (a chat-completion
      request, a page load) gives back: the returned text, or the text of the
      exception it raised (`str(e)`). */
  datatype Reply = Text(content: string) | Failure(message: string)

  /** The result of opening and reading a local file. */
  datatype FileRead = Read(content: string) | ReadError(message: string)

  function Min(a: int, b: int): int {
    if a <= b then a else b
  }

  /** A non-empty sequence is its front followed by its last element. */
  lemma SnocSplit<T>(s: seq<T>)
    requires |s| > 0
    ensures s == s[..|s| - 1] + [s[|s| - 1]]
  {
  }

  /** A sequence is what comes before position `i`, the element there and
      what comes after it. */
  lemma SplitAround<T>(s: seq<T>, i: nat)
    requires i < |s|
    ensures s == (s[..i] + [s[i]]) + s[i + 1..]
  {
    assert s[..i] + [s[i]] == s[..i + 1];
  }

  /** The front and the last element of `p + [x]`. */
  lemma SnocParts<T>(p: seq<T>, x: T)
    ensures (p + [x])[..|p|] == p && (p + [x])[|p|] == x
  {
  }
}
