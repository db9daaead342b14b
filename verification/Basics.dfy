/** Result types shared by every component. */
module Basics {
  datatype Option<+T> = None | Some(value: T)

  datatype Result<+T, +E> = Ok(value: T) | Err(error: E)

  function Or<T>(o: Option<T>, fallback: T): T
  {
    if o.Some? then o.value else fallback
  }

  function Max(a: int, b: int): int { if a > b then a else b }

  function Min(a: int, b: int): int { if a < b then a else b }

  lemma Associate<T>(a: seq<T>, b: seq<T>, c: seq<T>)
    ensures a + (b + c) == a + b + c
  {
  }

  /** Texts with something put between each two of them, from the `k`-th text on. */
  function Weave(texts: seq<string>, put: seq<string>, k: nat): string
    requires |texts| == |put| + 1 && k <= |put|
    decreases |put| - k
  {
    if k == |put| then texts[k] else texts[k] + put[k] + Weave(texts, put, k + 1)
  }

  lemma {:induction false} WeaveBehind(text: string, one: string, texts: seq<string>, put: seq<string>, k: nat)
    requires |texts| == |put| + 1 && k <= |put|
    ensures Weave([text] + texts, [one] + put, k + 1) == Weave(texts, put, k)
    decreases |put| - k
  {
    if k < |put| {
      WeaveBehind(text, one, texts, put, k + 1);
    }
  }

  lemma WeaveMore(text: string, one: string, texts: seq<string>, put: seq<string>)
    requires |texts| == |put| + 1
    ensures Weave([text] + texts, [one] + put, 0) == text + one + Weave(texts, put, 0)
  {
    WeaveBehind(text, one, texts, put, 0);
  }
}
