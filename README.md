# Palindrome resource

A Dafny model of `PalindromeResource`, the one class of the Quarkus/Micrometer
demo. It exposes a palindrome check over HTTP in two instrumented forms. One
form increments a call counter. The other times the check. A third operation
clears the in-memory list of received inputs, whose length backs a size gauge.

- `palindromes.dfy`, module `Palindromes`: what a palindrome is, generic in
  the element type. `Reverse` and `IsPalindrome` (equal to its own reversal),
  the pairwise view `Mirrored` (every pair `(i, |s|-1-i)` matches),
  `FirstMismatch`, and the lemmas that connect them.
- `boundary.dfy`, module `Boundary`: a Java `char` is a UTF-16 code unit, the
  newtype `CodeUnit` (`0 <= c < 0x10000`), and a Java `String` is a
  `seq<CodeUnit>`. This is what `charAt` indexes and `!=` compares, so a
  character outside the Basic Multilingual Plane is two elements (a surrogate
  pair), and lone surrogates are ordinary elements. `CheckPalindrome` is the
  two-pointer loop of `internalCheckPalindrome`, written as a `while` loop.
  The class `PalindromeResource` holds the list as a `seq<String>` field `log`
  and the counter as a `nat` field `counter`. `ListSize()` is the value of the
  `palindrome.list.size` gauge.

The loop's indices are Java `int`s. They cannot overflow: `right` starts at
`length() - 1 >= -1`, and both indices only move toward each other. So they
are modelled as unbounded integers. Termination is shown with `right - left`
as the decreasing measure.

## Model

| member | source | states |
|---|---|---|
| `Boundary.CheckPalindrome` | quarkus-micrometer-demo/src/main/java/at/htlleonding/boundary/PalindromeResource.java:41-53 | The answer is true exactly when the input equals its reversal, and exactly when every mirror pair matches. A false answer comes with a first mismatching pair in the front half, with all earlier pairs matching. The loop invariants keep `0 <= left <= right + 1`, `left + right == length - 1` (so both `charAt` calls are in bounds) and "every pair already compared matches". |
| `Palindromes.PalindromeIffMirrored` | quarkus-micrometer-demo/src/main/java/at/htlleonding/boundary/PalindromeResource.java:45-52 | Comparing the pairs `(i, length-1-i)` decides the same thing as comparing the string with its reversal, in both directions. |
| `Palindromes.MirroredFromFrontHalf` | quarkus-micrometer-demo/src/main/java/at/htlleonding/boundary/PalindromeResource.java:45-52 | Once the indices meet or cross and every pair compared so far matched, every pair of the string matches; this is why the loop may stop at the middle and answer true. |
| `Palindromes.MismatchRefutes` | quarkus-micrometer-demo/src/main/java/at/htlleonding/boundary/PalindromeResource.java:46-47 | Any mirror pair `(i, length-1-i)` whose elements differ proves the string is not a palindrome, which justifies the early `return false`; `CheckPalindrome` uses it at that return. |
| `Palindromes.ShortIsPalindrome` | quarkus-micrometer-demo/src/main/java/at/htlleonding/boundary/PalindromeResource.java:42-52 | Empty and one-character strings are palindromes; for them `right <= left` at the start, so the loop body never runs and the check answers true. |
| `Palindromes.PalindromeOfReverse` | quarkus-micrometer-demo/src/main/java/at/htlleonding/boundary/PalindromeResource.java:41-53 | The check gives the same answer for a string and for its reversal. |
| `Boundary.CheckExamples` | quarkus-micrometer-demo/src/main/java/at/htlleonding/boundary/PalindromeResource.java:41-53 | Over code units: "", "a", "aba" and "abba" are palindromes; "ab" and "abca" are not; nor is "a", U+1F600, "a", whose surrogate pair D83D DE00 is not mirrored, as `charAt` sees it. |
| `Palindromes.ReverseInvolutive` | quarkus-micrometer-demo/src/main/java/at/htlleonding/boundary/PalindromeResource.java:41-53 | Reversing twice gives the original string. `PalindromeOfReverse` rests on this. |
| `Boundary.PalindromeResource.constructor` | quarkus-micrometer-demo/src/main/java/at/htlleonding/boundary/PalindromeResource.java:14-19 | A new resource starts with an empty list, so the gauge reads 0, and with the counter at 0. |
| `Boundary.PalindromeResource.CheckPalindromeCounter` | quarkus-micrometer-demo/src/main/java/at/htlleonding/boundary/PalindromeResource.java:23-28 | The input is appended at the end of the list, earlier entries unchanged, so the gauge grows by exactly one. The counter grows by exactly one whatever the answer is. The answer is the palindrome check of the input. |
| `Boundary.PalindromeResource.CheckPalindromeAndTimer` | quarkus-micrometer-demo/src/main/java/at/htlleonding/boundary/PalindromeResource.java:32-39 | The input is appended at the end of the list and the gauge grows by one. The counter is unchanged. The answer is the palindrome check of the input. |
| `Boundary.PalindromeResource.EmptyList` | quarkus-micrometer-demo/src/main/java/at/htlleonding/boundary/PalindromeResource.java:55-59 | Afterwards the list is empty and the gauge (line 18) reads 0, whatever the list held before. The ensures does not depend on the old list, so a second call changes nothing. The counter is unchanged. |

## Left out

- Micrometer itself: the registry, `gaugeCollectionSize`, `Timer.start` and `sample.stop`. These are calls into a library outside the model. The timer measures wall-clock time, which has no meaning here. The counter is kept as an integer field. Its real home is the process-wide registry, so the model's start value of 0 is an assumption. The gauge is `ListSize()`.
- JAX-RS routing, path-parameter percent-decoding and the JSON response. This is HTTP plumbing; the model starts from the decoded `input` string.
- Concurrent requests. The source's `LinkedList` is not synchronised, so concurrent `add`/`clear` calls may race. The model is sequential.
- Unicode text structure: like `charAt`, the model compares UTF-16 code units one by one. There is no code-point, grapheme or normalisation handling, as in the source.
- `internalCheckPalindrome` is a private instance method that reads no field. It is modelled as the module-level method `CheckPalindrome`, which the class methods call.
