/** Elements as sequences of machine words, which is how both machines copy them. */
module Words {

  /** A machine word of an element; words are only ever copied. */
  type Word = int
  type Element = seq<Word>

  /** `e` with word `j` set to `w` and every other word as it was. */
  function WithWord(e: Element, j: nat, w: Word): (r: Element)
    ensures |r| == |e|
    ensures j < |e| ==> r[j] == w
    ensures forall i :: 0 <= i < |e| && i != j ==> r[i] == e[i]
  {
    if j < |e| then e[j := w] else e
  }

  function WordAt(e: Element, j: nat): (w: Word)
    ensures j < |e| ==> w == e[j]
  {
    if j < |e| then e[j] else 0
  }

  function Filled(words: nat, w: Word): (e: Element)
    ensures |e| == words
    ensures words > 0 ==> e[0] == w
  {
    seq(words, _ => w)
  }

  /** One more word of `v` stored into `e`. */
  lemma WordStored(e: Element, v: Element, d: nat)
    requires d < |e| == |v|
    ensures WithWord(e, d, WordAt(v, d))[..d + 1] + v[d + 1..] == e[..d] + v[d..]
  {
    assert v[d..] == [v[d]] + v[d + 1..];
  }

  lemma UpdateTwice<T>(s: seq<T>, i: nat, x: T, y: T)
    requires i < |s|
    ensures s[i := x][i := y] == s[i := y]
  {
  }

  predicate Sized(words: nat, vs: seq<Element>) {
    forall i :: 0 <= i < |vs| ==> |vs[i]| == words
  }

  /** The slots of a ring of `n` elements. */
  predicate RingOf(n: nat, words: nat, slots: seq<Element>) {
    n >= 1 && |slots| == n && Sized(words, slots)
  }

  function Repeat<T>(x: T, k: nat): (r: seq<T>)
    ensures |r| == k
  {
    if k == 0 then [] else [x] + Repeat(x, k - 1)
  }

  lemma {:induction false} RepeatElems<T>(x: T, k: nat)
    ensures forall j :: 0 <= j < k ==> Repeat(x, k)[j] == x
  {
    if k > 0 {
      RepeatElems(x, k - 1);
    }
  }
}
