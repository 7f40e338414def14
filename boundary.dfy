// The palindrome resource: a two-pointer palindrome check, and the request log
// and call counter that the HTTP operations update around it.
module Boundary {
  import opened Palindromes

  /**
   * A Java `char`: one UTF-16 code unit. A character outside the Basic
   * Multilingual Plane occupies two of them (a surrogate pair), and `charAt`
   * returns each half separately.
   */
  newtype CodeUnit = c: int | 0 <= c < 0x1_0000

  /** A Java `String`, as the sequence of code units that `charAt` indexes. */
  type String = seq<CodeUnit>

  /**
   * The two-pointer check of the resource. `left` walks forward from the first
   * code unit, `right` backward from the last; the first pair that differs
   * answers false, and the walk answers true once the indices meet or cross.
   */
  method CheckPalindrome(input: String) returns (result: bool)
    ensures result <==> IsPalindrome(input)
    ensures result <==> Mirrored(input)
    ensures !result ==> exists i :: FirstMismatch(input, i)
  {
    var left := 0;
    var right := |input| - 1;
    while left < right
      invariant 0 <= left <= right + 1
      invariant left + right == |input| - 1
      invariant forall j :: 0 <= j < left ==> input[j] == input[|input| - 1 - j]
      decreases right - left
    {
      if input[left] != input[right] {
        assert FirstMismatch(input, left);
        MismatchRefutes(input, left);
        return false;
      }
      left := left + 1;
      right := right - 1;
    }
    MirroredFromFrontHalf(input, left);
    PalindromeIffMirrored(input);
    return true;
  }

  /**
   * Worked examples, written as code units: "", "a", "aba" and "abba" pass the
   * check, "ab" and "abca" do not. "a\u{1F600}a" is the three-character text
   * a, grinning face, a; its emoji is the surrogate pair D83D DE00, which is not
   * mirrored, so the code-unit check rejects the string.
   */
  lemma CheckExamples()
    ensures IsPalindrome<CodeUnit>([]) && IsPalindrome<CodeUnit>([0x61])
    ensures IsPalindrome<CodeUnit>([0x61, 0x62, 0x61]) && IsPalindrome<CodeUnit>([0x61, 0x62, 0x62, 0x61])
    ensures !IsPalindrome<CodeUnit>([0x61, 0x62]) && !IsPalindrome<CodeUnit>([0x61, 0x62, 0x63, 0x61])
    ensures !IsPalindrome<CodeUnit>([0x61, 0xD83D, 0xDE00, 0x61])
  {
  }

  /**
   * The resource's own state: the list of every input received since the last
   * clear, in arrival order, and the value of the call counter.
   */
  class PalindromeResource {
    var log: seq<String>
    var counter: nat

    /** A fresh resource: the list is empty and the counter has not been bumped. */
    constructor ()
      ensures log == [] && counter == 0
    {
      log := [];
      counter := 0;
    }

    /** The value the size gauge reports: the live length of the list. */
    function ListSize(): nat
      reads this
    {
      |log|
    }

    /** Counted check: log the input, bump the counter, answer the check. */
    method CheckPalindromeCounter(input: String) returns (result: bool)
      modifies this
      ensures log == old(log) + [input]
      ensures ListSize() == old(ListSize()) + 1
      ensures counter == old(counter) + 1
      ensures result <==> IsPalindrome(input)
    {
      log := log + [input];
      counter := counter + 1;
      result := CheckPalindrome(input);
    }

    /** Timed check: log the input and answer the check; the counter is untouched. */
    method CheckPalindromeAndTimer(input: String) returns (result: bool)
      modifies this
      ensures log == old(log) + [input]
      ensures ListSize() == old(ListSize()) + 1
      ensures counter == old(counter)
      ensures result <==> IsPalindrome(input)
    {
      log := log + [input];
      result := CheckPalindrome(input);
    }

    /** Clear the list; the counter is untouched. */
    method EmptyList()
      modifies this
      ensures log == [] && ListSize() == 0
      ensures counter == old(counter)
    {
      log := [];
    }
  }
}
