/** The one C string routine both the input and the tokenizer rely on. */
module CString {

  /** `strcspn(s, [c])`: the length of the longest prefix of `s` that does not contain `c`. */
  function Span(s: string, c: char): (k: nat)
    ensures k <= |s|
    ensures forall j :: 0 <= j < k ==> s[j] != c
    ensures k < |s| ==> s[k] == c
  {
    if s == [] || s[0] == c then 0 else 1 + Span(s[1..], c)
  }

  /** The span is the one length that meets its three conditions. */
  lemma SpanUnique(s: string, c: char, k: nat)
    requires k <= |s|
    requires forall j :: 0 <= j < k ==> s[j] != c
    requires k < |s| ==> s[k] == c
    ensures Span(s, c) == k
  {
  }
}
