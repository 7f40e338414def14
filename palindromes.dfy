// The meaning of "palindrome" used by the palindrome resource: a sequence that is
// equal to its own reversal. The definitions are generic in the element type;
// the resource instantiates them with UTF-16 code units (module Boundary), so
// comparison is exact element by element: no case folding, no whitespace
// stripping, no Unicode normalisation.
module Palindromes {

  /** The reversal of `s`. */
  function Reverse<T>(s: seq<T>): (r: seq<T>)
    ensures |r| == |s|
  {
    if s == [] then [] else Reverse(s[1..]) + [s[0]]
  }

  /** A palindrome reads the same forwards and backwards. */
  predicate IsPalindrome<T(==)>(s: seq<T>) {
    s == Reverse(s)
  }

  /** Every character equals its mirror image: the pairs (i, |s|-1-i) all match. */
  predicate Mirrored<T(==)>(s: seq<T>) {
    forall i :: 0 <= i < |s| ==> s[i] == s[|s| - 1 - i]
  }

  /**
   * `i` is the first index, counted from the front, whose mirror pair differs:
   * it lies in the front half and every pair before it matches.
   */
  predicate FirstMismatch<T(==)>(s: seq<T>, i: int) {
    0 <= i < |s| / 2 &&
    s[i] != s[|s| - 1 - i] &&
    forall j :: 0 <= j < i ==> s[j] == s[|s| - 1 - j]
  }

  /** The k-th character of the reversal is the k-th character from the end. */
  lemma {:induction false} ReverseAt<T>(s: seq<T>, k: int)
    requires 0 <= k < |s|
    ensures Reverse(s)[k] == s[|s| - 1 - k]
  {
    if k < |s| - 1 {
      ReverseAt(s[1..], k);
    }
  }

  /** Reversing twice gives back the original string. */
  lemma ReverseInvolutive<T>(s: seq<T>)
    ensures Reverse(Reverse(s)) == s
  {
    var r := Reverse(s);
    forall k | 0 <= k < |s|
      ensures Reverse(r)[k] == s[k]
    {
      ReverseAt(r, k);
      ReverseAt(s, |s| - 1 - k);
    }
  }

  /** Equal to its reversal exactly when every mirror pair matches. */
  lemma PalindromeIffMirrored<T>(s: seq<T>)
    ensures IsPalindrome(s) <==> Mirrored(s)
  {
    if IsPalindrome(s) {
      forall i | 0 <= i < |s|
        ensures s[i] == s[|s| - 1 - i]
      {
        ReverseAt(s, i);
      }
    }
    if Mirrored(s) {
      forall k | 0 <= k < |s|
        ensures Reverse(s)[k] == s[k]
      {
        ReverseAt(s, k);
      }
    }
  }

  /**
   * The pairs in the back half repeat those in the front half, so a string is
   * mirrored once the first `left` pairs match and `left` has reached the
   * middle.
   */
  lemma MirroredFromFrontHalf<T>(s: seq<T>, left: int)
    requires 0 <= left <= |s| && |s| - 1 - left <= left
    requires forall j :: 0 <= j < left ==> s[j] == s[|s| - 1 - j]
    ensures Mirrored(s)
  {
  }

  /** Any mirror pair that differs is a witness that the string is not a palindrome. */
  lemma MismatchRefutes<T>(s: seq<T>, i: int)
    requires 0 <= i < |s| && s[i] != s[|s| - 1 - i]
    ensures !IsPalindrome(s)
  {
    PalindromeIffMirrored(s);
  }

  /** A string is a palindrome exactly when its reversal is one. */
  lemma PalindromeOfReverse<T>(s: seq<T>)
    ensures IsPalindrome(s) <==> IsPalindrome(Reverse(s))
  {
    ReverseInvolutive(s);
  }

  /** Strings of length zero or one are palindromes: there is no pair to compare. */
  lemma ShortIsPalindrome<T>(s: seq<T>)
    requires |s| <= 1
    ensures IsPalindrome(s)
  {
  }
}
