/** White space and ASCII letters, as Rust's `char` knows them. */
module Characters {
  predicate White(c: char) {
    var n := c as int;
    9 <= n <= 13 || n == 32 || n == 0x85 || n == 0xA0 || n == 0x1680 || 0x2000 <= n <= 0x200A
    || n == 0x2028 || n == 0x2029 || n == 0x202F || n == 0x205F || n == 0x3000
  }

  /** The code points with the White_Space property of the Unicode Standard. */
  const WHITE_SPACE := {0x09, 0x0A, 0x0B, 0x0C, 0x0D, 0x20, 0x85, 0xA0, 0x1680, 0x2000, 0x2001, 0x2002, 0x2003,
                        0x2004, 0x2005, 0x2006, 0x2007, 0x2008, 0x2009, 0x200A, 0x2028, 0x2029, 0x202F, 0x205F, 0x3000}

  lemma WhiteIff(c: char)
    ensures White(c) <==> c as int in WHITE_SPACE
  {
  }

  /** ASCII lower case; all other characters stay. */
  function LowerChar(c: char): char {
    if 'A' <= c <= 'Z' then (c as int + 32) as char else c
  }

  /** `c` is `lower`, which is no capital, or its capital. */
  predicate SameLetter(c: char, lower: char) {
    c == lower || ('a' <= lower <= 'z' && c as int + 32 == lower as int)
  }

  lemma LowerCharIff(c: char, lower: char)
    requires !('A' <= lower <= 'Z')
    ensures LowerChar(c) == lower <==> SameLetter(c, lower)
  {
  }
}
