/** Characters that the text scanners of several components tell apart. */
module Chars {
  predicate IsDigit(c: char) { '0' <= c <= '9' }
}
